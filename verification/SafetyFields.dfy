/** What every step of a run makes of the other fields of the runtime: how far a recovery is, whether the motors count
    as verified off, and whether a protective hold is being sent (runtime/src/runtime_safety.cpp and the files beside
    it). */
module SafetyFields {
  import opened Results
  import opened SafetyState
  import opened SafetyProperties
  import opened SafetyTransitions

  /** The hardware is read by a connect: from a disconnected runtime, or to revalidate one without a motor fault. */
  predicate ConnectReads(s: State, c: Connecting) {
    && !s.stopping && c.complete
    && (s.mode == Disconnected || (s.mode == Fault && s.faultLatched && !s.estop && !s.motorFault && !c.cachedFault))
  }

  /** A shutdown disables the motors first. */
  predicate ClosingDisables(s: State) {
    && !s.stopping && s.mode != Disconnected
    && (!s.disableConfirmed || Controlled(s.mode) || s.mode == SafeHold || s.mode == SafeStop)
  }

  /** One look on the way home that ends the recovery. */
  predicate PollFails(s: State, feedback: bool) {
    !feedback || s.mode in {Fault, SafeStop, Degraded}
  }

  /** The worker enters the fault state, again or for the first time. */
  ghost predicate WorkFaults(s: State, it: Iteration, c: Config) {
    FaultReason(s, it, c) || (StopReason(s, it, c) && !it.hold.arm)
  }

  /** How far the recovery is after a step. */
  ghost function RecoveryAfter(s: State, step: Step, config: Config): Recovery {
    match step
    case BeginRecovery(r) => if s.stopping then s.recovery else if RecoveryPasses(s, r) then Prepared else NoRecovery
    case EnableRecovery(_, _, _) => if EnabledCause(s, step, config) then Homing else NoRecovery
    case PollRecovery(feedback, reached, _, _) =>
      if PollFails(s, feedback) then NoRecovery else if reached then Arrived else s.recovery
    case GiveUpRecovery(_, _) => NoRecovery
    case FinishRecovery(_, _, _) => NoRecovery
    case _ => s.recovery
  }

  /** Whether the motors count as verified off after a step. */
  ghost predicate OffAfter(s: State, step: Step, config: Config) {
    var was := s.disableConfirmed;
    match step
    case Connect(c) => if ConnectReads(s, c) then ReadsOff(c.snapshot) else was
    case Enable(e) =>
      if !MayEnable(s) || (e.WithoutCallback? && !e.mailbox) then was
      else e.WithCallback? && !TurnsOn(e, config.motors, false) && TurnsOff(e.rollback)
    case EnableRecovery(_, _, fallback) => !EnabledCause(s, step, config) && TurnsOff(fallback)
    case Disable(d, _) => if s.mode == Disconnected then was else TurnsOff(d)
    case SetPower(b) =>
      if !TakesBatch(s, b) then was else !BatchStuck(b) && !(b.enable && b.succeeded) && ReadsOff(b.after)
    case QueryPower(complete, snapshot) =>
      if s.mode in {Ready, PartiallyEnabled} && complete then ReadsOff(snapshot) else was
    case Maintain(op, m) =>
      if !Permitted(s, op) then was else (Fit(op, m) && Completed(m)) || (was && !FailsBadly(op, m))
    case TimeOutClearing(_) => false
    case Close(d, _) => if ClosingDisables(s) then TurnsOff(d) else was
    case GripperFailed(_, _) => was && SafeHoldCause(s, step)
    case Work(it) => was && !WorkFaults(s, it, config)
    case BeginRecovery(r) => if s.stopping then was else RecoveryPasses(s, r) || TurnsOff(r.fallback)
    case PollRecovery(feedback, _, _, fallback) => if PollFails(s, feedback) then TurnsOff(fallback) else was
    case GiveUpRecovery(_, fallback) => TurnsOff(fallback)
    case FinishRecovery(d, _, fallback) => (s.mode != Disconnected && TurnsOff(d)) || TurnsOff(fallback)
    case _ => was
  }

  /** Whether a protective hold is being sent after a step. */
  ghost predicate HoldingAfter(s: State, step: Step, config: Config) {
    var was := s.activity.holding;
    match step
    case Disable(_, _) => was && s.mode == Disconnected
    case Close(_, _) => was && s.stopping
    case Estop(hold) =>
      if s.estop || s.mode == Disconnected then was else !s.disableConfirmed && s.mode != Ready && (hold.arm || hold.grippers)
    case GripperFailed(_, hold) => !SafeHoldCause(s, step) && (hold.arm || hold.grippers)
    case Work(it) =>
      if StopReason(s, it, config) || FaultReason(s, it, config) then it.hold.arm || it.hold.grippers else was
    case BeginRecovery(_) => was && s.stopping
    case EnableRecovery(_, _, _) => was && EnabledCause(s, step, config)
    case PollRecovery(feedback, _, _, _) => was && !PollFails(s, feedback)
    case GiveUpRecovery(_, _) => false
    case FinishRecovery(_, _, _) => false
    case _ => was
  }

  ghost predicate FieldsFollow(s: State, step: Step, config: Config, s': State) {
    && s'.recovery == RecoveryAfter(s, step, config)
    && (s'.disableConfirmed <==> OffAfter(s, step, config))
    && (s'.activity.holding <==> HoldingAfter(s, step, config))
  }

  lemma ConnectFields(s: State, c: Connecting, config: Config)
    ensures FieldsFollow(s, Connect(c), config, Connected(s, c))
  {
    ReadExactly(c.snapshot);
    hide ReadsOff, AllDisabled, AnyFault;
  }

  lemma EnableFields(s: State, e: Enabling, config: Config)
    requires EnablingFull(e, config.motors)
    ensures FieldsFollow(s, Enable(e), config, EnabledBy(s, e))
  {
    if e.WithCallback? {
      EnableConfirmedExactly(e.rounds, config.motors);
      DisableSucceedsExactly(e.rollback, config.motors);
    }
    hide EnableConfirmed, DisableSucceeds, EnabledAtRound, TurnsOff;
  }

  lemma DisableFields(s: State, d: Disabling, faultReported: bool, config: Config)
    requires DisablingFull(d, config.motors)
    ensures FieldsFollow(s, Disable(d, faultReported), config, DisabledBy(s, d, faultReported))
    ensures FieldsFollow(s, Close(d, faultReported), config, Closed(s, d, faultReported))
  {
    DisableSucceedsExactly(d, config.motors);
    hide DisableSucceeds, TurnsOff;
  }

  lemma SettledConfirms(s: State, b: Batch, parked: set<nat>, off: bool)
    ensures PowerSettled(s, b, parked, off).disableConfirmed <==> !BatchStuck(b) && off
  {
    hide AllIndices, Parking;
  }

  lemma SettledLatches(s: State, b: Batch, parked: set<nat>, off: bool)
    ensures PowerSettled(s, b, parked, off).faultLatched == (s.faultLatched || BatchStuck(b))
    ensures PowerSettled(s, b, parked, off).recovery == s.recovery
  {
    hide AllIndices, Parking;
  }

  lemma SettledHolds(s: State, b: Batch, parked: set<nat>, off: bool)
    ensures PowerSettled(s, b, parked, off).activity.holding == s.activity.holding
  {
    hide AllIndices, Parking;
    ParkingHolds(s, parked);
    ParkingHolds(s, {});
    ParkingHolds(s, parked + AllIndices(b.after));
  }

  lemma ParkingHolds(s: State, parked: set<nat>)
    ensures Parking(s, parked).holding == s.activity.holding
  {
  }

  lemma PowerOff(s: State, b: Batch)
    requires |b.after| > 0
    ensures var s' := PoweredBy(s, b);
            && s'.recovery == s.recovery && s'.activity.holding == s.activity.holding
            && (s'.disableConfirmed <==>
                  if !TakesBatch(s, b) then s.disableConfirmed
                  else !BatchStuck(b) && !(b.enable && b.succeeded) && ReadsOff(b.after))
  {
    ReadExactly(b.after);
    hide PowerOf, ReadsOff, PowerSettled, ParkedBy;
    SettledConfirms(s, b, ParkedBy(s, b), PowerOf(b.after) == AllOff);
    SettledLatches(s, b, ParkedBy(s, b), PowerOf(b.after) == AllOff);
    SettledHolds(s, b, ParkedBy(s, b), PowerOf(b.after) == AllOff);
  }

  lemma PowerFields(s: State, b: Batch, config: Config)
    requires |b.after| == config.motors
    ensures FieldsFollow(s, SetPower(b), config, PoweredBy(s, b))
  {
    hide PoweredBy, ReadsOff;
    PowerOff(s, b);
  }

  lemma QueryFields(s: State, complete: bool, snapshot: Snapshot, config: Config)
    requires |snapshot| == config.motors
    ensures FieldsFollow(s, QueryPower(complete, snapshot), config, QueriedBy(s, complete, snapshot))
  {
    ReadExactly(snapshot);
    hide PowerOf, ReadsOff;
  }

  lemma MaintainFields(s: State, op: Operation, m: Maintenance, config: Config)
    ensures FieldsFollow(s, Maintain(op, m), config, Maintained(s, op, m))
  {
    MaintenanceExactly(s, op, m);
    CodeLatches(s, op, m);
    hide MaintenanceCode, Latches, FailsBadly, Fit, Completed, Permitted;
  }

  lemma TimeOutFields(s: State, faultReported: bool, config: Config)
    ensures FieldsFollow(s, TimeOutClearing(faultReported), config, ClearingTimedOut(s, faultReported))
  {
  }

  lemma EstopFields(s: State, hold: Hold, config: Config)
    ensures FieldsFollow(s, Estop(hold), config, EmergencyStopped(s, hold))
  {
  }

  lemma GripperFields(s: State, captured: bool, hold: Hold, config: Config)
    requires Controlled(s.mode)
    ensures FieldsFollow(s, GripperFailed(captured, hold), config, GripperSendFailed(s, captured, hold))
  {
    hide Faulted;
    var counted := s.(failures := s.failures.(sends := s.failures.sends + 1));
    FaultHolds(counted, hold);
  }

  lemma FaultHolds(s: State, hold: Hold)
    requires s.mode != Disconnected
    ensures var s' := Faulted(s, hold, true);
            s'.recovery == s.recovery && !s'.disableConfirmed && (s'.activity.holding <==> hold.arm || hold.grippers)
  {
  }

  // ---------- The worker ----------

  /** A stop or a fault prepares the hold anew, and a fault takes the motors for powered; else neither changes. */
  predicate Acted(s: State, s': State, hold: Hold, acts: bool, faults: bool) {
    && (s'.activity.holding <==> if acts then hold.arm || hold.grippers else s.activity.holding)
    && (s'.disableConfirmed <==> s.disableConfirmed && !faults)
  }

  lemma FaultActs(s: State, hold: Hold)
    requires s.mode != Disconnected
    ensures Acted(s, Faulted(s, hold, true), hold, true, true)
  {
  }

  lemma StopActs(s: State, hold: Hold)
    requires Controlled(s.mode)
    ensures Acted(s, StoppedOrFaulted(s, hold), hold, true, !hold.arm)
  {
    hide Faulted;
    FaultActs(Holding(s, hold.Any()), hold);
  }

  lemma ControlActs(s: State, it: Iteration, c: Config)
    requires !s.stopping && !TimesOut(s, it)
    ensures var stops := Controls(s, it) && it.control.NotSent? && SendsExhausted(s, it, c);
            Acted(s, ControlStage(s, it, c).0, it.hold, stops, stops && !it.hold.arm)
  {
    hide StoppedOrFaulted;
    if Controls(s, it) && it.control.NotSent? {
      StopActs(if it.control.counted then s.(failures := s.failures.(sends := s.failures.sends + 1)) else s, it.hold);
    }
  }

  lemma MissActs(s: State, it: Iteration, c: Config)
    requires Watched(s)
    ensures var stops := !Alarm(s, it) && s.mode == Degraded && 3 * c.feedbackThreshold <= s.failures.feedback + 1;
            Acted(s, FeedbackMissed(s, it, c), it.hold, stops || Alarm(s, it), (stops && !it.hold.arm) || Alarm(s, it))
  {
    hide StoppedOrFaulted, Faulted, FeedbackSevere, FeedbackHealthy, FeedbackGood, Alarm, AnyFault;
    FeedbackExactly(s, it);
    var failed := Missing(s, AnyFault(it.snapshot));
    FaultActs(failed, it.hold);
    if s.mode == Degraded {
      StopActs(failed, it.hold);
    }
  }

  lemma GripperActs(s: State, it: Iteration)
    requires Controlled(s.mode)
    ensures Acted(s, GripperStage(true, s, it).0, it.hold, !it.gripper.GripperSent?,
                  it.gripper.GripperFault? || (it.gripper.GripperNotSent? && !it.hold.arm))
  {
    hide StoppedOrFaulted, Faulted;
    FaultActs(s, it.hold);
    StopActs(s.(failures := s.failures.(sends := s.failures.sends + 1)), it.hold);
  }

  lemma HoldActs(due: bool, s: State, it: Iteration, c: Config)
    requires due ==> s.mode in {SafeHold, SafeStop, Fault}
    ensures var faults := due && s.mode != Fault && !it.holdSent && c.holdThreshold <= s.failures.holds + 1;
            Acted(s, HoldStage(due, s, it, c), it.hold, faults, faults)
  {
    hide Faulted;
    if due {
      FaultActs(HoldMissed(s), it.hold);
    }
  }

  lemma BadFeedbackActs(s: State, t: State, it: Iteration, c: Config)
    requires BehindControl(s, t, it) && Acted(s, t, it.hold, false, false) && Checks(s, it) && !FeedbackGood(s, it)
    ensures Acted(s, Rest(s, t, it, c), it.hold, StopReason(s, it, c) || FaultReason(s, it, c), WorkFaults(s, it, c))
  {
    hide FeedbackGood, Alarm, FeedbackHealthy, FeedbackMissed, GripperStage, HoldStage;
    SameJudgement(s, t, it);
    FeedbackExactly(t, it);
    MissActs(t, it, c);
  }

  lemma GoodFeedbackActs(s: State, t: State, it: Iteration, c: Config)
    requires BehindControl(s, t, it) && Acted(s, t, it.hold, false, false) && FeedbackPasses(s, it)
    ensures Acted(s, Rest(s, t, it, c), it.hold, StopReason(s, it, c) || FaultReason(s, it, c), WorkFaults(s, it, c))
  {
    hide FeedbackGood, Alarm, FeedbackHealthy, FeedbackMissed, GripperStage, HoldStage;
    SameJudgement(s, t, it);
    FeedbackExactly(t, it);
    var checked := FeedbackStage(Watched(s) && it.feedbackDue, t, it, c).0;
    assert checked == t.(failures := checked.failures) && checked.failures.holds == s.failures.holds;
    GrippersAndHoldAct(s, t, checked, it, c);
  }

  lemma GrippersAndHoldAct(s: State, t: State, checked: State, it: Iteration, c: Config)
    requires BehindControl(s, t, it) && Acted(s, t, it.hold, false, false) && FeedbackPasses(s, it)
    requires Alarm(s, it) ==> !FeedbackGood(s, it)
    requires checked == t.(failures := checked.failures) && checked.failures.holds == s.failures.holds
    ensures var (gripped, ended) := GripperStage(Controlled(s.mode) && it.gripperDue, checked, it);
            var s' := if ended then gripped else HoldStage(HoldDue(s, it), gripped, it, c);
            Acted(s, s', it.hold, StopReason(s, it, c) || FaultReason(s, it, c), WorkFaults(s, it, c))
  {
    hide FeedbackGood, Alarm, HoldStage, GripperStage;
    if ControlsGrippers(s, it) {
      GripperActs(checked, it);
      GripperLeads(checked, it);
      HoldActs(false, GripperStage(true, checked, it).0, it, c);
    } else {
      GripperNotDue(checked, it);
      HoldActs(HoldDue(s, it), checked, it, c);
    }
  }

  lemma WorkActs(s: State, it: Iteration, c: Config)
    ensures Acted(s, Iterated(s, it, c), it.hold, StopReason(s, it, c) || FaultReason(s, it, c), WorkFaults(s, it, c))
  {
    hide ControlStage, FeedbackStage, GripperStage, HoldStage, StoppedOrFaulted, FeedbackGood, Alarm;
    if s.stopping {
    } else if TimesOut(s, it) {
      StopActs(s, it.hold);
    } else if s.mode == Ready && it.readyDue {
    } else {
      ControlLeads(s, it, c);
      ControlActs(s, it, c);
      var (t, done) := ControlStage(s, it, c);
      if !done {
        if Checks(s, it) && !FeedbackGood(s, it) {
          BadFeedbackActs(s, t, it, c);
        } else {
          GoodFeedbackActs(s, t, it, c);
        }
      }
    }
  }

  lemma WorkFields(s: State, it: Iteration, c: Config)
    ensures FieldsFollow(s, Work(it), c, Iterated(s, it, c))
  {
    hide Iterated, StopReason, FaultReason;
    WorkActs(s, it, c);
    IteratedStep(s, it, c);
  }

  // ---------- The phases of a recovery ----------

  lemma FailureFields(s: State, faultReported: bool, fallback: Disabling, config: Config)
    requires DisablingFull(fallback, config.motors)
    ensures var s' := RecoveryFailed(s, faultReported, fallback);
            s'.recovery == NoRecovery && !s'.activity.holding && (s'.disableConfirmed <==> TurnsOff(fallback))
  {
    DisableSucceedsExactly(fallback, config.motors);
    hide DisableSucceeds, TurnsOff;
  }

  lemma CheckedFields(s: State, r: Recovering, config: Config)
    requires DisablingFull(r.disabling, config.motors) && DisablingFull(r.fallback, config.motors)
    ensures var s', passes := RecoveryChecked(s, r), TurnsOff(r.disabling) && r.cleared && r.healthy
                                                     && ReadsOff(r.health) && r.configured;
            && s'.recovery == (if passes then Prepared else NoRecovery) && !s'.activity.holding
            && (s'.disableConfirmed <==> passes || TurnsOff(r.fallback))
  {
    DisableSucceedsExactly(r.disabling, config.motors);
    ReadExactly(r.health);
    hide DisableSucceeds, TurnsOff, ReadsOff, AllDisabled, RecoveryFailed;
    FailureFields(Frozen(s, DisableSucceeds(r.disabling)), r.faultReported, r.fallback, config);
    FailureFields(Frozen(s, true).(motorFault := false), r.faultReported, r.fallback, config);
  }

  lemma BeginFields(s: State, r: Recovering, config: Config)
    requires DisablingFull(r.disabling, config.motors) && DisablingFull(r.fallback, config.motors)
    ensures FieldsFollow(s, BeginRecovery(r), config, RecoveryBegun(s, r))
  {
    hide TurnsOff, ReadsOff, RecoveryChecked, RecoveryFailed, Connected;
    FailureFields(s, r.faultReported, r.fallback, config);
    CheckedFields(s, r, config);
    CheckedFields(Connected(s, r.connecting), r, config);
  }

  lemma EnableRecoveryFields(s: State, e: Enabling, faultReported: bool, fallback: Disabling, config: Config)
    requires EnablingFull(e, config.motors) && DisablingFull(fallback, config.motors)
    ensures FieldsFollow(s, EnableRecovery(e, faultReported, fallback), config, RecoveryEnabled(s, e, faultReported, fallback))
  {
    EnableSucceedsExactly(s, e, config.motors);
    if EnableSucceeds(s, e) {
      EnableSuccessFields(s, e);
    }
    FailureFields(EnabledBy(s, e), faultReported, fallback, config);
    hide TurnsOff, TurnsOn, RecoveryFailed, EnabledBy, EnableSucceeds;
  }

  lemma EnableSuccessFields(s: State, e: Enabling)
    requires EnableSucceeds(s, e)
    ensures !EnabledBy(s, e).disableConfirmed && EnabledBy(s, e).activity.holding == s.activity.holding
  {
    hide EnableConfirmed, DisableSucceeds;
  }

  lemma PollPhase(s: State, feedback: bool, reached: bool, faultReported: bool, fallback: Disabling, config: Config)
    requires DisablingFull(fallback, config.motors)
    ensures FieldsFollow(s, PollRecovery(feedback, reached, faultReported, fallback), config,
                         RecoveryPolled(s, feedback, reached, faultReported, fallback))
  {
    hide TurnsOff, RecoveryFailed, RecoveryPolled;
    FailureFields(s, faultReported, fallback, config);
    PollFields(s, feedback, reached, faultReported, fallback);
  }

  lemma GiveUpPhase(s: State, faultReported: bool, fallback: Disabling, config: Config)
    requires DisablingFull(fallback, config.motors)
    ensures FieldsFollow(s, GiveUpRecovery(faultReported, fallback), config, RecoveryFailed(s, faultReported, fallback))
  {
    hide TurnsOff, RecoveryFailed;
    FailureFields(s, faultReported, fallback, config);
  }

  lemma PollFields(s: State, feedback: bool, reached: bool, faultReported: bool, fallback: Disabling)
    ensures var s' := RecoveryPolled(s, feedback, reached, faultReported, fallback);
            if PollFails(s, feedback) then s' == RecoveryFailed(s, faultReported, fallback)
            else s' == s.(recovery := if reached then Arrived else s.recovery)
  {
    hide RecoveryFailed;
  }

  lemma FinishFields(s: State, d: Disabling, faultReported: bool, fallback: Disabling, config: Config)
    requires DisablingFull(d, config.motors) && DisablingFull(fallback, config.motors)
    ensures FieldsFollow(s, FinishRecovery(d, faultReported, fallback), config,
                         RecoveryFinished(s, d, faultReported, fallback))
  {
    DisableSucceedsExactly(d, config.motors);
    DisableFields(s, d, faultReported, config);
    FailureFields(DisabledBy(s, d, faultReported), faultReported, fallback, config);
    hide TurnsOff, RecoveryFailed, DisabledBy, DisableSucceeds;
  }

  /** Every step leaves the recovery, the confirmed disable and the protective hold exactly so. */
  lemma FieldsNext(s: State, step: Step, config: Config)
    requires SafetyProperties.Enabled(s, step, config)
    ensures FieldsFollow(s, step, config, Next(s, step, config))
  {
    hide FieldsFollow, Connected, EnabledBy, DisabledBy, PoweredBy, QueriedBy, Maintained, Closed, Iterated, RecoveryBegun,
      RecoveryEnabled, RecoveryPolled, RecoveryFailed, RecoveryFinished, ClearingTimedOut, EmergencyStopped,
      GripperSendFailed;
    match step
    case Connect(c) => ConnectFields(s, c, config);
    case Enable(e) => EnableFields(s, e, config);
    case EnableRecovery(e, faultReported, fallback) => EnableRecoveryFields(s, e, faultReported, fallback, config);
    case Disable(d, faultReported) => DisableFields(s, d, faultReported, config);
    case SetPower(b) => PowerFields(s, b, config);
    case QueryPower(complete, snapshot) => QueryFields(s, complete, snapshot, config);
    case Maintain(op, m) => MaintainFields(s, op, m, config);
    case TimeOutClearing(faultReported) => TimeOutFields(s, faultReported, config);
    case Close(d, faultReported) => DisableFields(s, d, faultReported, config);
    case Estop(hold) => EstopFields(s, hold, config);
    case GripperFailed(captured, hold) => GripperFields(s, captured, hold, config);
    case Work(it) => WorkFields(s, it, config);
    case BeginRecovery(r) => BeginFields(s, r, config);
    case FinishRecovery(d, faultReported, fallback) => FinishFields(s, d, faultReported, fallback, config);
    case PollRecovery(feedback, reached, faultReported, fallback) =>
      PollPhase(s, feedback, reached, faultReported, fallback, config);
    case GiveUpRecovery(faultReported, fallback) => GiveUpPhase(s, faultReported, fallback, config);
    case _ => CommandFields(s, step, config);
  }

  lemma CommandFields(s: State, step: Step, config: Config)
    requires step.TakeOver? || step.AcceptCommand? || step.PlanCommand?
    ensures FieldsFollow(s, step, config, Next(s, step, config))
  {
  }
}
