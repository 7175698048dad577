/** The runtime object: its fields, the calls that change them, and the worker that watches them.
    What the motors and the clock answer comes in as parameters (runtime/src/runtime_enable.cpp,
    runtime/src/runtime_worker.cpp and the files beside them). */
module SafetyRuntime {
  import opened Results
  import opened SafetyState

  /** Ask for feedback until a round confirms that every motor is disabled, or time runs out. */
  method ConfirmUntilDeadline(rounds: seq<Round>) returns (confirmed: bool)
    ensures confirmed == SomeConfirms(rounds)
  {
    for i := 0 to |rounds|
      invariant forall k :: 0 <= k < i ==> !Confirms(rounds[k])
    {
      var round, unconfirmed := rounds[i], {};
      for motor := 0 to |round.snapshot|
        invariant unconfirmed == set k: nat | k < motor && UnconfirmedAt(round, k)
      {
        var reading := round.snapshot[motor];
        var missing := motor in round.missing && reading.status.Some?;
        if (!round.complete && round.missing == {}) || missing || !reading.recent || reading.status != Some(0) {
          unconfirmed := unconfirmed + {motor};
        }
      }
      if unconfirmed == {} {
        assert forall k: nat :: k < |round.snapshot| && UnconfirmedAt(round, k) ==> k in unconfirmed;
        return true;
      }
      assert !Confirms(round);
    }
    return false;
  }

  /** Drain the queue, send disable to every motor, wait, and retry the unconfirmed ones once. */
  method DisableHardware(d: Disabling) returns (confirmed: bool)
    ensures confirmed == DisableSucceeds(d)
  {
    var quiet := ConfirmUntilDeadline(d.first);
    if !quiet {
      quiet := ConfirmUntilDeadline(d.second);
    }
    return d.barrier && quiet;
  }

  method ConfirmEnabledFeedback(rounds: seq<EnableRound>) returns (confirmed: bool)
    ensures confirmed == EnableConfirmed(rounds, 0)
  {
    for i := 0 to |rounds|
      invariant EnableConfirmed(rounds, i) == EnableConfirmed(rounds, 0)
    {
      var round := rounds[i];
      var allEnabled := round.complete;
      for motor := 0 to |round.snapshot|
        invariant forall k: nat :: k < motor ==> !(round.snapshot[k].recent && FaultAt(round.snapshot, k))
        invariant allEnabled == (round.complete && forall k: nat :: k < motor ==>
                                   round.snapshot[k].recent && HasStatus(round.snapshot, k, 1))
      {
        var reading := round.snapshot[motor];
        if !reading.recent || reading.status.None? {
          allEnabled := false;
          continue;
        }
        if reading.status.value > 1 {
          assert FaultAt(round.snapshot, motor);
          return false;
        }
        if reading.status.value != 1 {
          allEnabled := false;
        }
      }
      if allEnabled {
        return true;
      }
      if round.retryFails {
        return false;
      }
    }
    return false;
  }

  class Runtime {
    var mode: Mode
    var faultLatched: bool
    var estop: bool
    var motorFault: bool
    var disableConfirmed: bool
    var stopping: bool
    var recovery: Recovery
    var clearing: bool
    var activity: Activity
    var failures: Failures

    constructor ()
      ensures Value() == Initial()
    {
      mode, faultLatched, estop, motorFault, disableConfirmed := Disconnected, false, false, false, false;
      stopping, recovery, clearing := false, NoRecovery, false;
      activity, failures := NO_ACTIVITY, NO_FAILURES;
    }

    function Value(): State
      reads this
    {
      State(mode, faultLatched, estop, motorFault, disableConfirmed, stopping, recovery, clearing, activity, failures)
    }

    method Connect(c: Connecting)
      modifies this
      ensures Value() == Connected(old(Value()), c)
    {
      hide AllDisabled, AnyFault;
      if stopping {
        return;
      }
      var revalidating := false;
      if mode != Disconnected {
        if !(mode == Fault && faultLatched && !estop && !motorFault) {
          return;
        }
        if c.cachedFault {
          motorFault := true;
          return;
        }
        revalidating := true;
      }
      if !c.complete {
        return;
      }
      var physicalDisable := AllDisabled(c.snapshot);
      var reported := AnyFault(c.snapshot);
      if revalidating && !reported && !physicalDisable {
        disableConfirmed := false;
        return;
      }
      motorFault := motorFault || reported;
      mode := if estop || motorFault then Fault else Ready;
      faultLatched := estop || motorFault;
      disableConfirmed := physicalDisable;
    }

    method InitializeEnabledState()
      modifies this
      ensures Value() == EnabledState(old(Value()))
    {
      mode := Enabled;
      disableConfirmed := false;
      failures := NO_FAILURES;
      activity := Activity(false, false, false, activity.holding, {});
    }

    method RollBackEnable(faultReported: bool, rollback: Disabling)
      modifies this
      ensures Value() == old(Value()).(mode := Fault, faultLatched := true,
                                       motorFault := old(motorFault) || faultReported,
                                       disableConfirmed := DisableSucceeds(rollback))
    {
      mode := Fault;
      faultLatched := true;
      motorFault := motorFault || faultReported;
      disableConfirmed := false;
      var disabled := DisableHardware(rollback);
      disableConfirmed := disabled;
    }

    method Enable(e: Enabling) returns (ok: bool)
      modifies this
      ensures Value() == EnabledBy(old(Value()), e) && ok == EnableSucceeds(old(Value()), e)
    {
      hide EnableConfirmed, DisableSucceeds;
      if (mode != Ready && mode != PartiallyEnabled) || faultLatched {
        return false;
      }
      match e
      case WithoutCallback(mailbox, seeded) =>
        if mailbox {
          InitializeEnabledState();
        }
        return mailbox && seeded;
      case WithCallback(prepared, held, rounds, faultReported, rollback) =>
        if prepared {
          InitializeEnabledState();
          if held {
            var confirmed := ConfirmEnabledFeedback(rounds);
            if confirmed {
              return true;
            }
          }
        }
        RollBackEnable(faultReported, rollback);
        return false;
    }

    method Disable(d: Disabling, faultReported: bool) returns (ok: bool)
      modifies this
      ensures Value() == DisabledBy(old(Value()), d, faultReported)
      ensures ok == (old(mode) != Disconnected && DisableSucceeds(d))
    {
      hide DisableSucceeds;
      if mode == Disconnected {
        return false;
      }
      var preserveFault := mode == Fault && faultLatched;
      var confirmed := DisableHardware(d);
      disableConfirmed := confirmed;
      activity := Activity(false, false, false, false, activity.parked);
      if confirmed {
        activity := activity.(parked := {});
        if preserveFault {
          mode := Fault;
          faultLatched := true;
        } else {
          mode := Ready;
        }
      } else {
        mode := Fault;
        faultLatched := true;
        motorFault := motorFault || faultReported;
      }
      return confirmed;
    }

    method Park(parked: set<nat>)
      modifies `activity
      ensures Value() == old(Value()).(activity := Parking(old(Value()), parked))
    {
      activity := activity.(parked := parked);
    }

    method SetMotorPower(b: Batch)
      modifies this
      ensures Value() == PoweredBy(old(Value()), b)
    {
      hide PowerOf, AllIndices;
      if mode == Disconnected || stopping {
        return;
      }
      if b.enable && ((mode != Ready && mode != PartiallyEnabled) || faultLatched) {
        return;
      }
      if b.enable && !b.canEnable {
        return;
      }
      var parked, off := activity.parked, PowerOf(b.after) == AllOff;
      if !b.enable {
        parked := parked + b.selected;
      } else {
        if mode == Ready {
          parked := parked + b.offBefore;
        }
        parked := if b.succeeded then parked - b.selected else parked + b.offBefore * b.selected;
      }
      assert parked == ParkedBy(Value(), b);
      SettlePower(b, parked, off);
      if b.enable && b.succeeded && !faultLatched {
        mode := PartiallyEnabled;
        disableConfirmed := false;
      }
    }

    /** The outcome of a power transaction, before a success of enabling is recorded. */
    method SettlePower(b: Batch, parked: set<nat>, off: bool)
      modifies this
      ensures Value() == PowerSettled(old(Value()), b, parked, off)
    {
      hide AllIndices;
      var preserve := !b.enable && Abnormal(mode);
      if b.enable && b.rolledBack && !b.rollbackConfirmed {
        mode := Fault;
        faultLatched := true;
        motorFault := motorFault || b.faultReported;
        disableConfirmed := false;
        Park(parked);
      } else if off {
        disableConfirmed := true;
        if preserve {
          Park(parked + AllIndices(b.after));
        } else if !faultLatched {
          mode := Ready;
          Park({});
        } else {
          Park(parked);
        }
      } else {
        disableConfirmed := false;
        if !preserve && !faultLatched {
          mode := PartiallyEnabled;
        }
        Park(parked);
      }
    }

    method QueryMotorPower(complete: bool, snapshot: Snapshot)
      modifies this
      ensures Value() == QueriedBy(old(Value()), complete, snapshot)
    {
      hide PowerOf;
      if mode != Ready && mode != PartiallyEnabled {
        return;
      }
      if !complete {
        return;
      }
      if PowerOf(snapshot) == AllOff {
        mode := Ready;
        disableConfirmed := true;
      } else {
        mode := PartiallyEnabled;
        disableConfirmed := false;
      }
    }

    method FinishMaintenance(op: Operation, code: Code, latch: bool, faultReported: bool)
      modifies this
      ensures Value() == Finished(old(Value()), op, code, latch, faultReported)
    {
      if code == Ok {
        mode := Ready;
        disableConfirmed := true;
        if op == ClearFaults {
          faultLatched := false;
          motorFault := false;
        }
      } else if latch {
        mode := Fault;
        faultLatched := true;
        motorFault := motorFault || faultReported;
        disableConfirmed := false;
      }
    }

    /** The first check the operation fails. */
    method PrecheckMaintenance(op: Operation, m: Maintenance) returns (code: Code)
      ensures code == Precheck(Value(), op, m)
    {
      if !(mode == Ready || (op == ClearFaults && mode == Fault && !estop)) {
        return InvalidState;
      }
      if !m.transportOk {
        return Transport;
      }
      if !m.before.complete {
        return Feedback;
      }
      for i := 0 to |m.before.snapshot|
        invariant MotorCodeFrom(op, m.before.snapshot, m.moving, i) == MotorCodeFrom(op, m.before.snapshot, m.moving, 0)
      {
        var reading := m.before.snapshot[i];
        if reading.status.None? {
          return Feedback;
        }
        if op != ClearFaults && reading.status.value != 0 {
          return NotDisabled;
        }
        if !reading.finite {
          return Feedback;
        }
        if op == SetZero && i in m.moving {
          return NotStationary;
        }
      }
      return Ok;
    }

    method Maintain(op: Operation, m: Maintenance) returns (code: Code)
      modifies this
      ensures Value() == Maintained(old(Value()), op, m) && code == MaintenanceCode(old(Value()), op, m)
    {
      hide Precheck, AllDisabled, Finished;
      code := PrecheckMaintenance(op, m);
      if code == Ok {
        if !m.supported {
          code := Unsupported;
        } else if !m.commandsOk {
          code := MotorCommand;
        } else if !m.after.complete {
          code := Feedback;
        } else if !AllDisabled(m.after.snapshot) || !m.settled {
          code := Verification;
        }
      }
      var latch := code == Transport || code == Feedback || code == NotDisabled || code == MotorCommand
                   || code == Verification;
      FinishMaintenance(op, code, latch, m.faultReported);
      clearing := op == ClearFaults && (code == Feedback || code == Verification);
    }

    /** The time to clear faults has run out after an attempt that could have been repeated. */
    method TimeOutClearing(faultReported: bool)
      modifies this
      ensures Value() == ClearingTimedOut(old(Value()), faultReported)
    {
      FinishMaintenance(ClearFaults, Feedback, true, faultReported);
      clearing := false;
    }

    method EnterFault(hold: Hold, allowHold: bool)
      modifies this
      ensures Value() == Faulted(old(Value()), hold, allowHold)
    {
      if mode == Disconnected {
        return;
      }
      mode := Fault;
      faultLatched := true;
      motorFault := motorFault || hold.faultReported;
      disableConfirmed := false;
      activity := activity.(holding := allowHold && hold.Any());
    }

    method EnterSafeStop(hold: Hold) returns (ok: bool)
      modifies this
      ensures (Value(), ok) == Stopped(old(Value()), hold)
    {
      activity := activity.(holding := hold.Any());
      if !hold.arm {
        return false;
      }
      if mode == Disconnected || mode == Ready || mode == Fault {
        return false;
      }
      mode := SafeStop;
      faultLatched := false;
      failures := failures.(holds := 0);
      return activity.holding;
    }

    method StopOrFault(hold: Hold)
      modifies this
      ensures Value() == StoppedOrFaulted(old(Value()), hold)
    {
      var ok := EnterSafeStop(hold);
      if !ok {
        EnterFault(hold, true);
      }
    }

    method Estop(hold: Hold)
      modifies this
      ensures Value() == EmergencyStopped(old(Value()), hold)
    {
      if estop {
        faultLatched := true;
        return;
      }
      estop := true;
      faultLatched := true;
      if mode == Disconnected {
        return;
      }
      var wasDisableConfirmed := disableConfirmed;
      var requiresHold := !disableConfirmed && mode != Ready;
      EnterFault(hold, requiresHold);
      if !requiresHold {
        disableConfirmed := wasDisableConfirmed;
      }
    }

    method FailGripperSend(captured: bool, hold: Hold)
      modifies this
      ensures Value() == GripperSendFailed(old(Value()), captured, hold)
    {
      failures := failures.(sends := failures.sends + 1);
      if mode == Running && activity.successful && captured {
        mode := SafeHold;
        activity := activity.(holding := false);
        failures := failures.(holds := 0);
      } else {
        EnterFault(hold, true);
      }
    }

    method Close(d: Disabling, faultReported: bool)
      modifies this
      ensures Value() == Closed(old(Value()), d, faultReported)
    {
      hide DisabledBy;
      if stopping {
        return;
      }
      var needsDisable := mode != Disconnected
                          && (!disableConfirmed || mode == Enabled || mode == Running || mode == Degraded
                              || mode == SafeHold || mode == SafeStop || mode == PartiallyEnabled);
      if needsDisable {
        var _ := Disable(d, faultReported);
      }
      stopping := true;
      activity := Activity(activity.successful, false, false, false, activity.parked);
      mode := Disconnected;
    }

    method FailRecovery(faultReported: bool, fallback: Disabling)
      modifies this
      ensures Value() == RecoveryFailed(old(Value()), faultReported, fallback)
    {
      activity := activity.(holding := false);
      mode := Fault;
      faultLatched := true;
      motorFault := motorFault || faultReported;
      var disabled := DisableHardware(fallback);
      disableConfirmed := disabled;
      recovery := NoRecovery;
    }

    /** Up to the point where the runtime reads READY and the motors may be enabled again. */
    method BeginRecovery(r: Recovering)
      modifies this
      ensures Value() == RecoveryBegun(old(Value()), r)
    {
      hide DisableSucceeds, AllDisabled, Connected;
      if stopping {
        return;
      }
      if mode == Disconnected {
        if !r.connecting.complete {
          FailRecovery(r.faultReported, r.fallback);
          return;
        }
        Connect(r.connecting);
      }
      PrepareRecovery(r);
    }

    /** Stop all motion and disable every motor. */
    method FreezeForRecovery(d: Disabling) returns (disabled: bool)
      modifies this
      ensures disabled == DisableSucceeds(d) && Value() == Frozen(old(Value()), disabled)
    {
      hide DisableSucceeds;
      mode := Fault;
      faultLatched := true;
      activity := activity.(holding := false);
      disabled := DisableHardware(d);
      if disabled {
        disableConfirmed := true;
      }
    }

    /** The runtime reads READY while the recovery goes on. */
    method ReadRecovered()
      modifies this
      ensures Value() == old(Value()).(mode := Ready, faultLatched := false, recovery := Prepared)
    {
      mode := Ready;
      faultLatched := false;
      recovery := Prepared;
    }

    method PrepareRecovery(r: Recovering)
      modifies this
      ensures Value() == RecoveryChecked(old(Value()), r)
    {
      hide DisableSucceeds, AllDisabled, RecoveryFailed, Frozen;
      var disabled := FreezeForRecovery(r.disabling);
      if !disabled || !r.cleared {
        FailRecovery(r.faultReported, r.fallback);
        return;
      }
      motorFault := false;
      if !r.healthy || !AllDisabled(r.health) || !r.configured {
        FailRecovery(r.faultReported, r.fallback);
        return;
      }
      ReadRecovered();
    }

    method EnableForRecovery(e: Enabling, faultReported: bool, fallback: Disabling)
      modifies this
      ensures Value() == RecoveryEnabled(old(Value()), e, faultReported, fallback)
    {
      hide EnabledBy, EnableSucceeds, RecoveryFailed;
      var ok := Enable(e);
      if ok {
        recovery := Homing;
      } else {
        FailRecovery(faultReported, fallback);
      }
    }

    method PollRecovery(feedback: bool, reached: bool, faultReported: bool, fallback: Disabling)
      modifies this
      ensures Value() == RecoveryPolled(old(Value()), feedback, reached, faultReported, fallback)
    {
      hide RecoveryFailed;
      if !feedback || mode == Fault || mode == SafeStop || mode == Degraded {
        FailRecovery(faultReported, fallback);
        return;
      }
      if reached {
        recovery := Arrived;
      }
    }

    method FinishRecovery(d: Disabling, faultReported: bool, fallback: Disabling)
      modifies this
      ensures Value() == RecoveryFinished(old(Value()), d, faultReported, fallback)
    {
      hide DisableSucceeds, RecoveryFailed;
      var ok := Disable(d, faultReported);
      if !ok {
        FailRecovery(faultReported, fallback);
        return;
      }
      mode := Ready;
      faultLatched, motorFault, estop := false, false, false;
      disableConfirmed := true;
      failures := Failures(0, 0, failures.holds);
      recovery := NoRecovery;
    }

    // ---------- The worker ----------

    method CommitSent(user: bool, newGripper: bool)
      modifies this
      ensures Value() == Transmitted(old(Value()), user, newGripper)
    {
      if user {
        activity := activity.(successful := true, accepted := false);
        if mode == Enabled {
          mode := Running;
        }
      }
      if newGripper {
        activity := activity.(successful := true);
        if mode == Enabled {
          mode := Running;
        }
      }
    }

    method RunArmControl(it: Iteration, c: Config) returns (done: bool)
      modifies this
      ensures (Value(), done) == ControlStage(old(Value()), it, c)
    {
      hide StoppedOrFaulted, Transmitted;
      if !Controlled(mode) || !it.controlDue {
        return false;
      }
      match it.control
      case Sent(user, newGripper) =>
        ghost var before := Value();
        CommitSent(user, newGripper);
        assert Value().failures == before.failures by { TransmittedKeepsFailures(before, user, newGripper); }
        failures := failures.(sends := 0);
        return false;
      case NotSent(counted) =>
        if counted {
          failures := failures.(sends := failures.sends + 1);
        }
        var limit := if c.feedbackThreshold == 0 then 1 else c.feedbackThreshold;
        if 0 < failures.sends < limit {
          return true;
        }
        StopOrFault(it.hold);
        return true;
    }

    /** Query the channels in order; the first one that is not in order names the error. */
    method RefreshTransport(channels: seq<Channel>) returns (healthy: bool, disconnected: bool)
      ensures healthy == ChannelsOk(channels) && disconnected == NamedDisconnected(channels)
    {
      healthy, disconnected := true, false;
      for i := 0 to |channels|
        invariant healthy == ChannelsOk(channels[..i])
        invariant healthy ==> !disconnected
        invariant !healthy ==> exists k: nat :: k < i && NamedChannel(channels, k) && disconnected == !channels[k].connected
      {
        assert channels[..i + 1] == channels[..i] + [channels[i]];
        if !(channels[i].queried && channels[i].connected && channels[i].healthy) {
          if healthy {
            assert NamedChannel(channels, i);
            disconnected := !channels[i].connected;
          }
          healthy := false;
        }
      }
      assert channels[..|channels|] == channels;
      OneNamed(channels);
    }

    /** Every motor's feedback, and whether what is wrong with it can wait. */
    method CheckReadings(it: Iteration) returns (healthy: bool, severe: bool, reported: bool)
      ensures healthy == FeedbackHealthy(Value(), it)
      ensures severe == FeedbackSevere(Value(), it) && reported == AnyFault(it.snapshot)
    {
      healthy, severe := RefreshTransport(it.channels);
      reported := false;
      for i := 0 to |it.snapshot|
        invariant healthy == (ChannelsOk(it.channels) && HealthyTo(Value(), it.snapshot, i))
        invariant severe == (NamedDisconnected(it.channels) || exists k: nat :: k < i && SevereAt(Value(), it.snapshot, k))
        invariant reported == exists k: nat :: k < i && FaultAt(it.snapshot, k)
      {
        var reading := it.snapshot[i];
        var fault := reading.status.Some? && reading.status.value > 1;
        var off := reading.status == Some(0) && i !in activity.parked;
        var broken := reading.status.Some? && !reading.finite;
        assert fault == FaultAt(it.snapshot, i);
        assert (fault || off || broken) == SevereAt(Value(), it.snapshot, i);
        if fault || off || broken {
          severe := true;
        }
        if fault {
          reported := true;
        }
        assert (!reading.recent || reading.status.None? || fault || off || broken) == !HealthyAt(Value(), it.snapshot, i);
        if !reading.recent || reading.status.None? || fault || off || broken {
          healthy := false;
        }
      }
    }

    method RunFeedbackCheck(due: bool, it: Iteration, c: Config) returns (done: bool)
      modifies this
      ensures (Value(), done) == FeedbackStage(due, old(Value()), it, c)
    {
      hide StoppedOrFaulted, Faulted, FeedbackHealthy, FeedbackSevere, AnyFault;
      if !due {
        return false;
      }
      if !Watched(Value()) {
        return true;
      }
      var healthy, severe, reported := CheckReadings(it);
      if healthy {
        failures := failures.(feedback := 0);
        return false;
      }
      motorFault := motorFault || reported;
      failures := failures.(feedback := failures.feedback + 1);
      if severe {
        EnterFault(it.hold, true);
      } else if mode == Degraded && failures.feedback >= 3 * c.feedbackThreshold {
        StopOrFault(it.hold);
      } else if mode == Running && failures.feedback >= c.feedbackThreshold {
        mode := Degraded;
      }
      return true;
    }

    method RunGripperControl(due: bool, it: Iteration) returns (done: bool)
      modifies this
      ensures (Value(), done) == GripperStage(due, old(Value()), it)
    {
      hide StoppedOrFaulted, Faulted, Transmitted;
      if !due || !Controlled(mode) {
        return false;
      }
      match it.gripper
      case GripperSent(newCommand) =>
        CommitSent(false, newCommand);
        return false;
      case GripperNotSent =>
        failures := failures.(sends := failures.sends + 1);
        StopOrFault(it.hold);
        return true;
      case GripperFault =>
        EnterFault(it.hold, true);
        return true;
    }

    method RunHold(due: bool, it: Iteration, c: Config)
      modifies this
      ensures Value() == HoldStage(due, old(Value()), it, c)
    {
      hide Faulted;
      if !due {
        return;
      }
      if it.holdSent || (mode != SafeHold && mode != SafeStop && mode != Fault) {
        failures := failures.(holds := 0);
        return;
      }
      failures := Failures(failures.sends + 1, failures.feedback, failures.holds + 1);
      if failures.holds >= c.holdThreshold && mode != Fault {
        EnterFault(it.hold, true);
      }
    }

    /** The control cycle, the feedback check, the grippers and the hold, as far as they are due. */
    method RunDue(feedbackDue: bool, gripperDue: bool, holdDue: bool, it: Iteration, c: Config)
      modifies this
      ensures Value() == Staged(old(Value()), feedbackDue, gripperDue, holdDue, it, c)
    {
      hide ControlStage, FeedbackStage, GripperStage, HoldStage;
      var done := RunArmControl(it, c);
      if done {
        return;
      }
      done := RunFeedbackCheck(feedbackDue, it, c);
      if done {
        return;
      }
      done := RunGripperControl(gripperDue, it);
      if done {
        return;
      }
      RunHold(holdDue, it, c);
    }

    method Iterate(it: Iteration, c: Config)
      modifies this
      ensures Value() == Iterated(old(Value()), it, c)
    {
      hide Staged, StoppedOrFaulted;
      if stopping {
        return;
      }
      var graceFault := mode == Enabled && it.graceElapsed && !activity.successful && !activity.accepted
                        && !activity.planning;
      var commandTimeout := (mode == Running || mode == Degraded || mode == PartiallyEnabled)
                            && activity.successful && it.timedOut;
      var feedbackDue := Watched(Value()) && it.feedbackDue;
      var gripperDue := Controlled(mode) && it.gripperDue;
      var holdDue := (mode == SafeHold || mode == SafeStop || (mode == Fault && activity.holding)) && it.holdDue;
      if graceFault || commandTimeout {
        StopOrFault(it.hold);
        return;
      }
      if mode == Ready && it.readyDue {
        if !it.readyComplete {
          failures := failures.(feedback := failures.feedback + 1);
        }
        return;
      }
      RunDue(feedbackDue, gripperDue, holdDue, it, c);
    }
  }

  lemma TransmittedKeepsFailures(s: State, user: bool, newGripper: bool)
    ensures Transmitted(s, user, newGripper).failures == s.failures
  {
  }
}
